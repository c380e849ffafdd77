/**
 * The PKCE encoder of the login button (frontend/src/components/LoginButton.jsx):
 * `base64URLEncode` is btoa (standard base64, section 4 of RFC 4648) followed by
 * three string replacements that turn it into unpadded base64url (section 5 of
 * RFC 4648), the form RFC 7636 asks for in `code_verifier` and `code_challenge`.
 */
module Base64Url {
  import opened Common

  /** A 6-bit group, the value one base64 digit stands for. */
  type sextet = v: int | 0 <= v < 64

  const Pad: char := '='

  /** The digit for v in the standard alphabet (Table 1 of RFC 4648). */
  function StdDigit(v: sextet): char
  {
    if v < 26 then (65 + v) as char
    else if v < 52 then (97 + v - 26) as char
    else if v < 62 then (48 + v - 52) as char
    else if v == 62 then '+'
    else '/'
  }

  /** The digit for v in the URL- and filename-safe alphabet (Table 2 of RFC 4648). */
  function UrlDigit(v: sextet): char
  {
    if v < 62 then StdDigit(v)
    else if v == 62 then '-'
    else '_'
  }

  /** The characters of the base64url alphabet, [A-Za-z0-9-_]. */
  predicate IsUrlChar(c: char)
  {
    ('A' <= c <= 'Z') || ('a' <= c <= 'z') || ('0' <= c <= '9') || c == '-' || c == '_'
  }

  /** The inverse of UrlDigit on the base64url alphabet. */
  function UrlValue(c: char): (v: Option<sextet>)
    ensures v.Some? <==> IsUrlChar(c)
    ensures v.Some? ==> UrlDigit(v.value) == c
  {
    if 'A' <= c <= 'Z' then Some(c as int - 65)
    else if 'a' <= c <= 'z' then Some(c as int - 97 + 26)
    else if '0' <= c <= '9' then Some(c as int - 48 + 52)
    else if c == '-' then Some(62)
    else if c == '_' then Some(63)
    else None
  }

  lemma UrlValueOfDigit(v: sextet)
    ensures UrlValue(UrlDigit(v)) == Some(v)
  {
  }

  /** The four sextets of one 24-bit input group b0 b1 b2 (section 4 of RFC 4648). */
  function Quantum(b0: byte, b1: byte, b2: byte): (q: seq<sextet>)
    ensures |q| == 4
  {
    [b0 / 4, b0 % 4 * 16 + b1 / 16, b1 % 16 * 4 + b2 / 64, b2 % 64]
  }

  /**
   * The 6-bit groups of b, most significant bits first, without padding: each
   * 3-byte group gives four sextets, a final 1 or 2 bytes give 2 or 3 sextets
   * (the first sextets of a quantum whose missing bytes are zero).
   */
  function Sextets(b: seq<byte>): (s: seq<sextet>)
    ensures |s| == (4 * |b| + 2) / 3
    decreases |b|
  {
    if |b| == 0 then []
    else if |b| == 1 then Quantum(b[0], 0, 0)[..2]
    else if |b| == 2 then Quantum(b[0], b[1], 0)[..3]
    else Quantum(b[0], b[1], b[2]) + Sextets(b[3..])
  }

  /** The '=' characters that complete the last quantum of a standard encoding of n bytes. */
  function Padding(n: nat): (p: string)
    ensures |p| == (3 - n % 3) % 3
    ensures forall i :: 0 <= i < |p| ==> p[i] == Pad
  {
    if n % 3 == 1 then [Pad, Pad] else if n % 3 == 2 then [Pad] else []
  }

  /** The standard-alphabet digits for the sextets x. */
  function StdDigits(x: seq<sextet>): (s: string)
    ensures |s| == |x|
  {
    seq(|x|, i requires 0 <= i < |x| => StdDigit(x[i]))
  }

  /**
   * What `btoa` yields for the bytes b: standard base64 (section 4 of RFC 4648),
   * four digits per 24-bit group and a final group of 1 or 2 bytes completed
   * with zero bits and '=' padding.
   */
  function Base64(b: seq<byte>): (s: string)
    ensures |s| == (|b| + 2) / 3 * 4
    decreases |b|
  {
    if |b| == 0 then ""
    else if |b| == 1 then StdDigits(Quantum(b[0], 0, 0)[..2]) + [Pad, Pad]
    else if |b| == 2 then StdDigits(Quantum(b[0], b[1], 0)[..3]) + [Pad]
    else StdDigits(Quantum(b[0], b[1], b[2])) + Base64(b[3..])
  }

  /** `s.replace(/x/g, y)` for a single character x. */
  function ReplaceAll(s: string, x: char, y: char): (r: string)
    ensures |r| == |s|
    ensures x != y ==> forall i :: 0 <= i < |r| ==> r[i] != x
    ensures forall i :: 0 <= i < |r| ==> r[i] == s[i] || r[i] == y
    ensures forall i :: 0 <= i < |s| && s[i] == x ==> r[i] == y
    ensures forall i :: 0 <= i < |s| && s[i] != x ==> r[i] == s[i]
  {
    seq(|s|, i requires 0 <= i < |s| => if s[i] == x then y else s[i])
  }

  /** `s.replace(/=+$/, "")`: drop the run of '=' at the end of s. */
  function StripTrailingPad(s: string): (r: string)
    ensures r <= s
    ensures r == [] || r[|r| - 1] != Pad
    ensures forall i :: |r| <= i < |s| ==> s[i] == Pad
    decreases |s|
  {
    if |s| > 0 && s[|s| - 1] == Pad then StripTrailingPad(s[..|s| - 1]) else s
  }

  /** base64URLEncode of LoginButton.jsx, step by step as written there. */
  function Base64UrlEncode(b: seq<byte>): (s: string)
    ensures |s| <= |Base64(b)|
    ensures forall i :: 0 <= i < |s| ==> s[i] != '+' && s[i] != '/'
    ensures s == [] || s[|s| - 1] != Pad
  {
    StripTrailingPad(ReplaceAll(ReplaceAll(Base64(b), '+', '-'), '/', '_'))
  }

  /** The base64url-alphabet digits for the sextets x. */
  function UrlDigits(x: seq<sextet>): (s: string)
    ensures |s| == |x|
    ensures forall i :: 0 <= i < |s| ==> IsUrlChar(s[i])
  {
    seq(|x|, i requires 0 <= i < |x| => UrlDigit(x[i]))
  }

  /** Unpadded base64url of b written directly in the alphabet of section 5 of RFC 4648. */
  function UrlEncode(b: seq<byte>): (s: string)
    ensures |s| == (4 * |b| + 2) / 3
    ensures forall i :: 0 <= i < |s| ==> IsUrlChar(s[i])
  {
    UrlDigits(Sextets(b))
  }

  lemma StdDigitsAppend(x: seq<sextet>, y: seq<sextet>)
    ensures StdDigits(x + y) == StdDigits(x) + StdDigits(y)
  {
  }

  /** One full group of three bytes in front of b[3..] adds its four digits and no padding. */
  lemma {:induction false} Base64Step(b: seq<byte>)
    requires |b| >= 3
    requires Base64(b[3..]) == StdDigits(Sextets(b[3..])) + Padding(|b[3..]|)
    ensures Base64(b) == StdDigits(Sextets(b)) + Padding(|b|)
  {
    var q := Quantum(b[0], b[1], b[2]);
    var y := Sextets(b[3..]);
    assert Sextets(b) == q + y;
    assert Base64(b) == StdDigits(q) + Base64(b[3..]);
    StdDigitsAppend(q, y);
    assert Padding(|b[3..]|) == Padding(|b|);
  }

  /** Standard base64 is the standard digits of the sextets followed by the padding. */
  lemma {:induction false} Base64IsDigitsThenPadding(b: seq<byte>)
    ensures Base64(b) == StdDigits(Sextets(b)) + Padding(|b|)
    decreases |b|
  {
    if |b| >= 3 {
      Base64IsDigitsThenPadding(b[3..]);
      Base64Step(b);
    }
  }

  lemma {:induction false} StripTrailingPadOfPadding(s: string, p: string)
    requires forall i :: 0 <= i < |p| ==> p[i] == Pad
    requires |s| == 0 || s[|s| - 1] != Pad
    ensures StripTrailingPad(s + p) == s
    decreases |p|
  {
    if |p| > 0 {
      assert (s + p)[..|s + p| - 1] == s + p[..|p| - 1];
      StripTrailingPadOfPadding(s, p[..|p| - 1]);
    } else {
      assert s + p == s;
    }
  }

  /** The replace chain of LoginButton.jsx produces exactly unpadded base64url. */
  lemma Base64UrlEncodeIsUrlEncode(b: seq<byte>)
    ensures Base64UrlEncode(b) == UrlEncode(b)
  {
    var x := Sextets(b);
    var pad := Padding(|b|);
    Base64IsDigitsThenPadding(b);
    var replaced := ReplaceAll(ReplaceAll(Base64(b), '+', '-'), '/', '_');
    assert replaced == UrlEncode(b) + pad by {
      assert |replaced| == |UrlEncode(b) + pad|;
      forall i | 0 <= i < |replaced|
        ensures replaced[i] == (UrlEncode(b) + pad)[i]
      {
        if i < |x| {
          assert Base64(b)[i] == StdDigits(x)[i];
        } else {
          assert Base64(b)[i] == pad[i - |x|];
        }
      }
    }
    var u := UrlEncode(b);
    assert |u| == 0 || u[|u| - 1] != Pad by {
      if |u| > 0 {
        assert IsUrlChar(u[|u| - 1]);
      }
    }
    StripTrailingPadOfPadding(u, pad);
  }

  /** Every character of the encoder's output is in [A-Za-z0-9-_], so none is '+', '/' or '='. */
  lemma EncodeAlphabet(b: seq<byte>)
    ensures forall i :: 0 <= i < |Base64UrlEncode(b)| ==> IsUrlChar(Base64UrlEncode(b)[i])
    ensures '+' !in Base64UrlEncode(b) && '/' !in Base64UrlEncode(b) && Pad !in Base64UrlEncode(b)
  {
    Base64UrlEncodeIsUrlEncode(b);
    var s := Base64UrlEncode(b);
    forall c | c in s
      ensures c != '+' && c != '/' && c != Pad
    {
      var i :| 0 <= i < |s| && s[i] == c;
      assert IsUrlChar(s[i]);
    }
  }

  /** n bytes encode to ceil(4n/3) characters. */
  lemma EncodeLength(b: seq<byte>)
    ensures |Base64UrlEncode(b)| == (4 * |b| + 2) / 3
  {
    Base64UrlEncodeIsUrlEncode(b);
  }

  /**
   * The bytes whose sextets are s, or None when s cannot come from an encoder:
   * a single trailing sextet, or unused low bits that are not zero (section 3.5
   * of RFC 4648 lets a decoder reject those).
   */
  function Bytes(s: seq<sextet>): (r: Option<seq<byte>>)
    decreases |s|
  {
    if |s| < 2 then
      if |s| == 0 then Some([]) else None
    else
      var s0, s1 := s[0] as int, s[1] as int;
      var b0: byte := s0 * 4 + s1 / 16;
      if |s| == 2 then
        if s[1] % 16 == 0 then Some([b0]) else None
      else
        var s2 := s[2] as int;
        var b1: byte := s1 % 16 * 16 + s2 / 4;
        if |s| == 3 then
          if s[2] % 4 == 0 then Some([b0, b1]) else None
        else
          var b2: byte := s2 % 4 * 64 + s[3] as int;
          match Bytes(s[4..])
          case None => None
          case Some(rest) => Some([b0, b1, b2] + rest)
  }

  /** The three bytes of a 24-bit group can be read back from its four sextets. */
  lemma QuantumBits(b0: byte, b1: byte, b2: byte)
    ensures var q := Quantum(b0, b1, b2);
      && q[0] as int * 4 + q[1] as int / 16 == b0
      && q[1] as int % 16 * 16 + q[2] as int / 4 == b1
      && q[2] as int % 4 * 64 + q[3] as int == b2
      && (b1 == 0 ==> q[1] % 16 == 0)
      && (b2 == 0 ==> q[2] % 4 == 0)
  {
  }

  /** Reading four sextets back as bytes and splitting those again gives the same sextets. */
  lemma QuantumOfBits(s: seq<sextet>, b0: byte, b1: byte, b2: byte)
    requires |s| == 4
    requires b0 == s[0] as int * 4 + s[1] as int / 16
    requires b1 == s[1] as int % 16 * 16 + s[2] as int / 4
    requires b2 == s[2] as int % 4 * 64 + s[3] as int
    ensures Quantum(b0, b1, b2) == s
  {
    var s0, s1, s2, s3 := s[0] as int, s[1] as int, s[2] as int, s[3] as int;
    assert b0 / 4 == s0 && b0 % 4 == s1 / 16;
    assert s1 == s1 / 16 * 16 + s1 % 16;
    assert b1 / 16 == s1 % 16 && b1 % 16 == s2 / 4;
    assert s2 == s2 / 4 * 4 + s2 % 4;
    assert b2 / 64 == s2 % 4 && b2 % 64 == s3;
    assert s == [s[0], s[1], s[2], s[3]];
  }

  /** One group of three bytes in front of b[3..] reads back through its four sextets. */
  lemma {:induction false} BytesOfSextetsStep(b: seq<byte>)
    requires |b| >= 3
    requires Bytes(Sextets(b[3..])) == Some(b[3..])
    ensures Bytes(Sextets(b)) == Some(b)
  {
    var x := Sextets(b);
    assert x == Quantum(b[0], b[1], b[2]) + Sextets(b[3..]);
    assert x[4..] == Sextets(b[3..]);
    QuantumBits(b[0], b[1], b[2]);
    assert b == [b[0], b[1], b[2]] + b[3..];
  }

  lemma {:induction false} BytesOfSextets(b: seq<byte>)
    ensures Bytes(Sextets(b)) == Some(b)
    decreases |b|
  {
    if |b| >= 3 {
      BytesOfSextets(b[3..]);
      BytesOfSextetsStep(b);
    } else if |b| == 2 {
      QuantumBits(b[0], b[1], 0);
      assert b == [b[0], b[1]];
    } else if |b| == 1 {
      QuantumBits(b[0], 0, 0);
      assert b == [b[0]];
    }
  }

  /** Four sextets in front of s[4..] split back from the three bytes they give. */
  lemma {:induction false} SextetsOfBytesStep(s: seq<sextet>, b: seq<byte>)
    requires |s| >= 4 && Bytes(s) == Some(b)
    requires Bytes(s[4..]).Some? && Sextets(Bytes(s[4..]).value) == s[4..]
    ensures Sextets(b) == s
  {
    var rest := Bytes(s[4..]).value;
    assert |b| >= 3 && b[3..] == rest;
    QuantumOfBits(s[..4], b[0], b[1], b[2]);
    assert Sextets(b) == Quantum(b[0], b[1], b[2]) + Sextets(b[3..]);
    assert s == s[..4] + s[4..];
  }

  lemma {:induction false} SextetsOfBytes(s: seq<sextet>, b: seq<byte>)
    requires Bytes(s) == Some(b)
    ensures Sextets(b) == s
    decreases |s|
  {
    if |s| >= 4 {
      SextetsOfBytes(s[4..], Bytes(s[4..]).value);
      SextetsOfBytesStep(s, b);
    } else if |s| == 3 {
      QuantumOfBits(s + [0], b[0], b[1], 0);
      assert s == (s + [0])[..3];
    } else if |s| == 2 {
      QuantumOfBits(s + [0, 0], b[0], 0, 0);
      assert s == (s + [0, 0])[..2];
    }
  }

  /** The sextets of a base64url text, or None if some character is outside the alphabet. */
  function UrlSextets(s: string): (r: Option<seq<sextet>>)
    ensures r.Some? ==> |r.value| == |s| && forall i :: 0 <= i < |s| ==> UrlDigit(r.value[i]) == s[i]
    ensures r.None? ==> exists i :: 0 <= i < |s| && !IsUrlChar(s[i])
    decreases |s|
  {
    if s == [] then Some([])
    else match UrlValue(s[0])
      case None => None
      case Some(v) =>
        match UrlSextets(s[1..])
        case None => None
        case Some(rest) => Some([v] + rest)
  }

  /** A decoder for unpadded base64url, the inverse of base64URLEncode. */
  function Base64UrlDecode(s: string): (r: Option<seq<byte>>)
  {
    match UrlSextets(s)
    case None => None
    case Some(x) => Bytes(x)
  }

  lemma UrlSextetsOfDigits(x: seq<sextet>)
    ensures UrlSextets(UrlDigits(x)) == Some(x)
  {
    var s := UrlDigits(x);
    forall i | 0 <= i < |s| ensures IsUrlChar(s[i]) {
      UrlValueOfDigit(x[i]);
    }
    var r := UrlSextets(s);
    assert r.Some?;
    forall i | 0 <= i < |s| ensures r.value[i] == x[i] {
      UrlValueOfDigit(x[i]);
      UrlValueOfDigit(r.value[i]);
    }
    assert r.value == x;
  }

  /** Decoding the encoder's output gives back the input bytes. */
  lemma DecodeEncode(b: seq<byte>)
    ensures Base64UrlDecode(Base64UrlEncode(b)) == Some(b)
  {
    Base64UrlEncodeIsUrlEncode(b);
    UrlSextetsOfDigits(Sextets(b));
    BytesOfSextets(b);
  }

  /** Whatever the decoder accepts is exactly what the encoder produces for the decoded bytes. */
  lemma EncodeDecode(s: string, b: seq<byte>)
    requires Base64UrlDecode(s) == Some(b)
    ensures Base64UrlEncode(b) == s
  {
    var x := UrlSextets(s).value;
    SextetsOfBytes(x, b);
    Base64UrlEncodeIsUrlEncode(b);
    assert UrlEncode(b) == s;
  }

  /** The characters RFC 7636 section 4.1 allows in a code verifier ("unreserved"). */
  predicate IsUnreserved(c: char)
  {
    ('A' <= c <= 'Z') || ('a' <= c <= 'z') || ('0' <= c <= '9') || c == '-' || c == '.' || c == '_' || c == '~'
  }

  /** The output of a SHA-256 computation: always 32 bytes. */
  type Digest = d: seq<byte> | |d| == 32 witness seq(32, i => 0)

  /** TextEncoder.encode: the UTF-8 bytes of s (section 3 of RFC 3629). */
  function Utf8(s: string): (r: seq<byte>)
    ensures |s| <= |r| <= 4 * |s|
    ensures (forall i :: 0 <= i < |s| ==> s[i] as int < 0x80) ==> |r| == |s| && forall i :: 0 <= i < |s| ==> r[i] == s[i] as int
  {
    if s == [] then []
    else
      var c := s[0] as int;
      var head: seq<byte> :=
        if c < 0x80 then [c]
        else if c < 0x800 then [0xC0 + c / 64, 0x80 + c % 64]
        else if c < 0x10000 then [0xE0 + c / 4096, 0x80 + c / 64 % 64, 0x80 + c % 64]
        else [0xF0 + c / 262144, 0x80 + c / 4096 % 64, 0x80 + c / 64 % 64, 0x80 + c % 64];
      head + Utf8(s[1..])
  }

  /** codeVerifier in login: base64URLEncode of 32 random bytes, a 43-character RFC 7636 verifier. */
  function CodeVerifier(random: seq<byte>): (v: string)
    requires |random| == 32
    ensures |v| == 43
    ensures forall i :: 0 <= i < |v| ==> IsUnreserved(v[i])
    ensures Base64UrlDecode(v) == Some(random)
  {
    EncodeLength(random);
    EncodeAlphabet(random);
    DecodeEncode(random);
    Base64UrlEncode(random)
  }

  /**
   * codeChallenge in login: the S256 transform of section 4.2 of RFC 7636,
   * base64url of the SHA-256 digest of the verifier's UTF-8 bytes; `sha256`
   * stands for crypto.subtle.digest.
   */
  function CodeChallenge(verifier: string, sha256: seq<byte> -> Digest): (c: string)
    ensures |c| == 43
    ensures forall i :: 0 <= i < |c| ==> IsUrlChar(c[i])
    ensures Base64UrlDecode(c) == Some(sha256(Utf8(verifier)))
  {
    var d := sha256(Utf8(verifier));
    EncodeLength(d);
    EncodeAlphabet(d);
    DecodeEncode(d);
    Base64UrlEncode(d)
  }
}
