/**
 * Base64 as section 4 of RFC 4648 defines it, the URL-safe alphabet of
 * section 5, and the forgiving decoder browsers expose as `atob`, which
 * `_urlBase64ToUint8Array` applies to a padded, re-alphabeted key.
 */
module Base64 {
  import opened Wrappers

  type byte = x: int | 0 <= x < 256

  /** Character `k` of the standard alphabet (Table 1 of RFC 4648). */
  function Char(k: int): char
    requires 0 <= k < 64
  {
    if k < 26 then ('A' as int + k) as char
    else if k < 52 then ('a' as int + (k - 26)) as char
    else if k < 62 then ('0' as int + (k - 52)) as char
    else if k == 62 then '+'
    else '/'
  }

  predicate IsAlphabetChar(c: char) {
    ('A' <= c <= 'Z') || ('a' <= c <= 'z') || ('0' <= c <= '9') || c == '+' || c == '/'
  }

  /** The value a standard-alphabet character encodes. */
  function Value(c: char): (k: int)
    requires IsAlphabetChar(c)
    ensures 0 <= k < 64
  {
    if 'A' <= c <= 'Z' then c as int - 'A' as int
    else if 'a' <= c <= 'z' then c as int - 'a' as int + 26
    else if '0' <= c <= '9' then c as int - '0' as int + 52
    else if c == '+' then 62
    else 63
  }

  lemma CharValue(k: int)
    requires 0 <= k < 64
    ensures IsAlphabetChar(Char(k)) && Value(Char(k)) == k
  {
  }

  predicate AllAlphabet(s: string) {
    forall i :: 0 <= i < |s| ==> IsAlphabetChar(s[i])
  }

  // ---------------------------------------------------------------- encoding

  /** Three bytes as four characters. */
  function EncodeGroup(b0: byte, b1: byte, b2: byte): string {
    var n: int := b0 * 65536 + b1 * 256 + b2;
    [Char(n / 262144), Char(n / 4096 % 64), Char(n / 64 % 64), Char(n % 64)]
  }

  /** The characters of the encoding before any `=`: two for a final single byte, three for a final pair. */
  function EncodeUnpadded(b: seq<byte>): (s: string)
    ensures AllAlphabet(s)
  {
    if |b| >= 3 then
      var g := EncodeGroup(b[0], b[1], b[2]);
      assert AllAlphabet(g) by {
        var n: int := (b[0] as int) * 65536 + (b[1] as int) * 256 + b[2] as int;
        CharValue(n / 262144); CharValue(n / 4096 % 64); CharValue(n / 64 % 64); CharValue(n % 64);
      }
      g + EncodeUnpadded(b[3..])
    else if |b| == 2 then
      var n: int := (b[0] as int) * 256 + b[1] as int;
      CharValue(n / 1024); CharValue(n / 16 % 64); CharValue(n % 16 * 4);
      [Char(n / 1024), Char(n / 16 % 64), Char(n % 16 * 4)]
    else if |b| == 1 then
      CharValue(b[0] / 4); CharValue(b[0] % 4 * 16);
      [Char(b[0] / 4), Char(b[0] % 4 * 16)]
    else []
  }

  function Repeat(c: char, n: nat): (s: string)
    ensures |s| == n && forall i :: 0 <= i < n ==> s[i] == c
  {
    if n == 0 then [] else [c] + Repeat(c, n - 1)
  }

  /** `(4 - len % 4) % 4`: the `=` characters that make the length a multiple of four. */
  function Padding(len: nat): (p: nat)
    ensures p <= 3 && (len + p) % 4 == 0
    ensures len % 4 == 0 ==> p == 0
  {
    (4 - len % 4) % 4
  }

  /** Section 4 of RFC 4648: the characters, then `=` up to a multiple of four. */
  function Encode(b: seq<byte>): (s: string)
    ensures |s| % 4 == 0
  {
    var u := EncodeUnpadded(b);
    u + Repeat('=', Padding(|u|))
  }

  /** Section 5 of RFC 4648: `+` is written `-` and `/` is written `_`. */
  function ToUrlChar(c: char): char {
    if c == '+' then '-' else if c == '/' then '_' else c
  }

  function ToUrlAlphabet(s: string): (r: string)
    ensures |r| == |s| && forall i :: 0 <= i < |s| ==> r[i] == ToUrlChar(s[i])
  {
    if s == [] then [] else [ToUrlChar(s[0])] + ToUrlAlphabet(s[1..])
  }

  /** The unpadded URL-safe encoding, as VAPID keys are published. */
  function EncodeUrl(b: seq<byte>): string {
    ToUrlAlphabet(EncodeUnpadded(b))
  }

  // ---------------------------------------------------------------- decoding

  /** `.replace(/\-/g, "+").replace(/_/g, "/")`. */
  function ToStandardChar(c: char): char {
    if c == '-' then '+' else if c == '_' then '/' else c
  }

  function ToStandardAlphabet(s: string): (r: string)
    ensures |r| == |s| && forall i :: 0 <= i < |s| ==> r[i] == ToStandardChar(s[i])
  {
    if s == [] then [] else [ToStandardChar(s[0])] + ToStandardAlphabet(s[1..])
  }

  /** Four characters as three bytes. */
  function DecodeGroup(s: string): (r: seq<byte>)
    requires |s| == 4 && AllAlphabet(s)
    ensures |r| == 3
  {
    var n: int := Value(s[0]) * 262144 + Value(s[1]) * 4096 + Value(s[2]) * 64 + Value(s[3]);
    [n / 65536, n / 256 % 256, n % 256]
  }

  /** Decodes alphabet characters; a final two or three give one or two bytes, the leftover bits dropped. */
  function DecodeChars(s: string): (r: seq<byte>)
    requires AllAlphabet(s) && |s| % 4 != 1
  {
    if |s| >= 4 then DecodeGroup(s[..4]) + DecodeChars(s[4..])
    else if |s| == 3 then
      var n := Value(s[0]) * 4096 + Value(s[1]) * 64 + Value(s[2]);
      [n / 1024, n / 4 % 256]
    else if |s| == 2 then
      [(Value(s[0]) * 64 + Value(s[1])) / 16]
    else []
  }

  /** A length that is a multiple of four loses one or two trailing `=`. */
  function StripPadding(s: string): (r: string)
    ensures |r| <= |s| && r == s[..|r|]
  {
    if |s| % 4 == 0 && |s| >= 2 && s[|s| - 1] == '=' && s[|s| - 2] == '=' then s[..|s| - 2]
    else if |s| % 4 == 0 && |s| >= 1 && s[|s| - 1] == '=' then s[..|s| - 1]
    else s
  }

  /**
   * `atob`: after the padding is stripped, a length of one more than a
   * multiple of four, or a character outside the alphabet, is an error.
   */
  function Decode(s: string): (r: Option<seq<byte>>)
    ensures r.Some? <==> |StripPadding(s)| % 4 != 1 && AllAlphabet(StripPadding(s))
  {
    var t := StripPadding(s);
    if |t| % 4 == 1 || !AllAlphabet(t) then None else Some(DecodeChars(t))
  }

  /** `_urlBase64ToUint8Array` on values: pad, convert the alphabet, decode. */
  function UrlBase64ToBytes(s: string): Option<seq<byte>> {
    Decode(ToStandardAlphabet(s + Repeat('=', Padding(|s|))))
  }

  /** `_urlBase64ToUint8Array`: one array cell per decoded byte; `None` where `atob` throws. */
  method UrlBase64ToUint8Array(base64String: string) returns (r: Option<array<byte>>)
    ensures r.None? <==> UrlBase64ToBytes(base64String).None?
    ensures r.Some? ==> fresh(r.value) && r.value[..] == UrlBase64ToBytes(base64String).value
  {
    var padding := Repeat('=', Padding(|base64String|));
    var base64 := ToStandardAlphabet(base64String + padding);
    var rawData := Decode(base64);
    if rawData.None? {
      return None;
    }
    var raw := rawData.value;
    var outputArray := new byte[|raw|];
    for i := 0 to |raw|
      invariant outputArray[..i] == raw[..i]
    {
      outputArray[i] := raw[i];
    }
    assert outputArray[..] == outputArray[..|raw|];
    r := Some(outputArray);
  }

  // ---------------------------------------------------------------- round trips

  lemma Split24(n: int)
    requires 0 <= n < 16777216
    ensures (n / 262144) * 262144 + (n / 4096 % 64) * 4096 + (n / 64 % 64) * 64 + n % 64 == n
  {
    var q1 := n / 64;
    var q2 := q1 / 64;
    assert n == q1 * 64 + n % 64;
    assert q1 == q2 * 64 + q1 % 64;
    assert q2 == (q2 / 64) * 64 + q2 % 64;
  }

  lemma Bytes24(b0: byte, b1: byte, b2: byte)
    ensures var n: int := b0 * 65536 + b1 * 256 + b2; n / 65536 == b0 && n / 256 % 256 == b1 && n % 256 == b2
  {
    var n: int := b0 * 65536 + b1 * 256 + b2;
    assert n / 256 == b0 * 256 + b1;
  }

  lemma GroupRoundTrip(b0: byte, b1: byte, b2: byte)
    ensures AllAlphabet(EncodeGroup(b0, b1, b2))
    ensures DecodeGroup(EncodeGroup(b0, b1, b2)) == [b0, b1, b2]
  {
    var n: int := b0 * 65536 + b1 * 256 + b2;
    var c0, c1, c2, c3 := n / 262144, n / 4096 % 64, n / 64 % 64, n % 64;
    CharValue(c0); CharValue(c1); CharValue(c2); CharValue(c3);
    var g := EncodeGroup(b0, b1, b2);
    assert g == [Char(c0), Char(c1), Char(c2), Char(c3)];
    Split24(n);
    assert Value(g[0]) * 262144 + Value(g[1]) * 4096 + Value(g[2]) * 64 + Value(g[3]) == n;
    Bytes24(b0, b1, b2);
  }

  lemma PairRoundTrip(b0: byte, b1: byte)
    ensures var n: int := b0 * 256 + b1; var c0, c1, c2 := n / 1024, n / 16 % 64, n % 16 * 4;
      var m: int := c0 * 4096 + c1 * 64 + c2; m / 1024 == b0 && m / 4 % 256 == b1
  {
    var n: int := b0 * 256 + b1;
    var q := n / 16;
    assert n == q * 16 + n % 16;
    assert q == (q / 64) * 64 + q % 64;
    assert n / 1024 == q / 64;
    var m: int := (n / 1024) * 4096 + (n / 16 % 64) * 64 + n % 16 * 4;
    assert m == 4 * n;
  }

  lemma SingleRoundTrip(b0: byte)
    ensures (b0 / 4 * 64 + b0 % 4 * 16) / 16 == b0
  {
    assert b0 / 4 * 64 + b0 % 4 * 16 == 16 * b0;
  }

  lemma DecodeCharsConcat(g: string, rest: string)
    requires |g| == 4 && AllAlphabet(g) && AllAlphabet(rest) && |rest| % 4 != 1
    ensures AllAlphabet(g + rest) && |g + rest| % 4 != 1
    ensures DecodeChars(g + rest) == DecodeGroup(g) + DecodeChars(rest)
  {
    assert (g + rest)[..4] == g && (g + rest)[4..] == rest;
  }

  lemma PairTail(b0: byte, b1: byte)
    ensures DecodeChars(EncodeUnpadded([b0, b1])) == [b0, b1]
  {
    var u := EncodeUnpadded([b0, b1]);
    var n: int := b0 * 256 + b1;
    CharValue(n / 1024); CharValue(n / 16 % 64); CharValue(n % 16 * 4);
    assert u == [Char(n / 1024), Char(n / 16 % 64), Char(n % 16 * 4)];
    PairRoundTrip(b0, b1);
  }

  lemma SingleTail(b0: byte)
    ensures DecodeChars(EncodeUnpadded([b0])) == [b0]
  {
    var u := EncodeUnpadded([b0]);
    CharValue(b0 / 4); CharValue(b0 % 4 * 16);
    assert u == [Char(b0 / 4), Char(b0 % 4 * 16)];
    SingleRoundTrip(b0);
  }

  /** One group of three bytes in front of an encoding that decodes back. */
  lemma GroupStep(b: seq<byte>)
    requires |b| >= 3
    requires |EncodeUnpadded(b[3..])| % 4 != 1 && DecodeChars(EncodeUnpadded(b[3..])) == b[3..]
    ensures |EncodeUnpadded(b)| % 4 != 1 && DecodeChars(EncodeUnpadded(b)) == b
  {
    var g := EncodeGroup(b[0], b[1], b[2]);
    var rest := EncodeUnpadded(b[3..]);
    GroupRoundTrip(b[0], b[1], b[2]);
    assert EncodeUnpadded(b) == g + rest;
    DecodeCharsConcat(g, rest);
    assert b == [b[0], b[1], b[2]] + b[3..];
  }

  lemma {:induction false} DecodeEncodeUnpadded(b: seq<byte>)
    ensures |EncodeUnpadded(b)| % 4 != 1
    ensures DecodeChars(EncodeUnpadded(b)) == b
    decreases |b|
  {
    if |b| >= 3 {
      DecodeEncodeUnpadded(b[3..]);
      GroupStep(b);
    } else if |b| == 2 {
      PairTail(b[0], b[1]);
      assert b == [b[0], b[1]];
    } else if |b| == 1 {
      SingleTail(b[0]);
      assert b == [b[0]];
    }
  }

  /** Stripping the padding of alphabet characters padded to a multiple of four gives them back. */
  lemma StripPadded(u: string)
    requires AllAlphabet(u) && |u| % 4 != 1
    ensures StripPadding(u + Repeat('=', Padding(|u|))) == u
  {
    var pad := Repeat('=', Padding(|u|));
    var s := u + pad;
    if |pad| == 0 {
      assert s == u;
      if |u| >= 1 {
        assert IsAlphabetChar(u[|u| - 1]);
      }
    } else if |pad| == 1 {
      assert IsAlphabetChar(u[|u| - 1]);
      assert s[..|s| - 1] == u;
    } else {
      assert s[..|s| - 2] == u;
    }
  }

  /** Decoding the section 4 encoding gives back the bytes. */
  lemma DecodeEncode(b: seq<byte>)
    ensures Decode(Encode(b)) == Some(b)
  {
    var u := EncodeUnpadded(b);
    DecodeEncodeUnpadded(b);
    StripPadded(u);
  }

  lemma {:induction false} StandardOfUrl(s: string)
    requires AllAlphabet(s)
    ensures ToStandardAlphabet(ToUrlAlphabet(s)) == s
  {
    var r := ToStandardAlphabet(ToUrlAlphabet(s));
    forall i | 0 <= i < |s| ensures r[i] == s[i] {
      assert IsAlphabetChar(s[i]);
    }
  }

  /** Converting back to the standard alphabet leaves the padding alone. */
  lemma StandardOfPadded(u: string, n: nat)
    requires AllAlphabet(u)
    ensures ToStandardAlphabet(ToUrlAlphabet(u) + Repeat('=', n)) == u + Repeat('=', n)
  {
    var e := ToUrlAlphabet(u);
    var pad := Repeat('=', n);
    StandardOfUrl(u);
    var r := ToStandardAlphabet(e + pad);
    forall i | 0 <= i < |r| ensures r[i] == (u + pad)[i] {
      if i < |e| {
        assert (e + pad)[i] == e[i];
        assert ToStandardChar(e[i]) == u[i];
      } else {
        assert (e + pad)[i] == '=';
      }
    }
  }

  /** `_urlBase64ToUint8Array` decodes the unpadded URL-safe encoding of any bytes back to them. */
  lemma UrlRoundTrip(b: seq<byte>)
    ensures UrlBase64ToBytes(EncodeUrl(b)) == Some(b)
  {
    var u := EncodeUnpadded(b);
    StandardOfPadded(u, Padding(|u|));
    DecodeEncode(b);
  }
}
