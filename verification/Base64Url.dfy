/**
 Unpadded base64url (section 5 of RFC 4648), as Go's base64.RawURLEncoding produces it, with a
 strict decoder as its partner. Codes, tokens and PKCE challenges are all written in it.
 */
module Base64Url {
  import opened Wrappers

  newtype sextet = i: int | 0 <= i < 64

  /** The character of a six-bit value in the URL-safe alphabet. */
  function Digit(i: sextet): (c: char)
    ensures IsDigit(c)
  {
    var n := i as int;
    if n < 26 then ('A' as int + n) as char
    else if n < 52 then ('a' as int + n - 26) as char
    else if n < 62 then ('0' as int + n - 52) as char
    else if n == 62 then '-' else '_'
  }

  predicate IsDigit(c: char) {
    'A' <= c <= 'Z' || 'a' <= c <= 'z' || '0' <= c <= '9' || c == '-' || c == '_'
  }

  function Value(c: char): (i: sextet)
    requires IsDigit(c)
    ensures Digit(i) == c
  {
    if 'A' <= c <= 'Z' then (c as int - 'A' as int) as sextet
    else if 'a' <= c <= 'z' then (c as int - 'a' as int + 26) as sextet
    else if '0' <= c <= '9' then (c as int - '0' as int + 52) as sextet
    else if c == '-' then 62 else 63
  }

  lemma DigitValue(i: sextet)
    ensures Value(Digit(i)) == i
  {
  }

  /** The alphabet of table 2 in section 5 of RFC 4648: where each run starts, and that runs go on in order. */
  lemma Alphabet(i: sextet)
    ensures Digit(0) == 'A' && Digit(26) == 'a' && Digit(52) == '0' && Digit(62) == '-' && Digit(63) == '_'
    ensures Digit(25) == 'Z' && Digit(51) == 'z' && Digit(61) == '9'
    ensures i != 25 && i != 51 && i < 61 ==> Digit(i + 1) as int == Digit(i) as int + 1
  {
  }

  /** Regroup bytes into six-bit values, padding the last one with zero bits. */
  function Sextets(b: Bytes): seq<sextet> {
    if |b| == 0 then []
    else if |b| == 1 then [S0(b[0]), S1(b[0], 0)]
    else if |b| == 2 then [S0(b[0]), S1(b[0], b[1]), S2(b[1], 0)]
    else [S0(b[0]), S1(b[0], b[1]), S2(b[1], b[2]), S3(b[2])] + Sextets(b[3..])
  }

  function S0(x: byte): sextet { (x as int / 4) as sextet }
  function S1(x: byte, y: byte): sextet { (x as int % 4 * 16 + y as int / 16) as sextet }
  function S2(y: byte, z: byte): sextet { (y as int % 16 * 4 + z as int / 64) as sextet }
  function S3(z: byte): sextet { (z as int % 64) as sextet }

  function B0(p: sextet, q: sextet): byte { (p as int * 4 + q as int / 16) as byte }
  function B1(q: sextet, r: sextet): byte { (q as int % 16 * 16 + r as int / 4) as byte }
  function B2(r: sextet, t: sextet): byte { (r as int % 4 * 64 + t as int) as byte }

  /** Regroup six-bit values into bytes; a lone trailing value and non-zero padding bits are refused. */
  function Octets(s: seq<sextet>): Option<Bytes> {
    if |s| == 0 then Some([])
    else if |s| == 1 then None
    else if |s| == 2 then
      if s[1] % 16 != 0 then None else Some([B0(s[0], s[1])])
    else if |s| == 3 then
      if s[2] % 4 != 0 then None else Some([B0(s[0], s[1]), B1(s[1], s[2])])
    else
      match Octets(s[4..])
      case None => None
      case Some(rest) => Some([B0(s[0], s[1]), B1(s[1], s[2]), B2(s[2], s[3])] + rest)
  }

  lemma BytesOfSextets(x: byte, y: byte, z: byte)
    ensures B0(S0(x), S1(x, y)) == x && B1(S1(x, y), S2(y, z)) == y && B2(S2(y, z), S3(z)) == z
    ensures S1(x, 0) % 16 == 0 && S2(y, 0) % 4 == 0
  {
  }

  /** Four sextets and three bytes carry the same 24 bits. */
  lemma SextetsOfBytes(p: sextet, q: sextet, r: sextet, t: sextet)
    ensures S0(B0(p, q)) == p && S1(B0(p, q), B1(q, r)) == q && S2(B1(q, r), B2(r, t)) == r && S3(B2(r, t)) == t
    ensures q % 16 == 0 ==> S1(B0(p, q), 0) == q
    ensures r % 4 == 0 ==> S2(B1(q, r), 0) == r
  {
  }

  lemma {:induction false} SextetsLength(b: Bytes)
    ensures |Sextets(b)| == (|b| * 8 + 5) / 6
  {
    if |b| >= 3 {
      SextetsLength(b[3..]);
    }
  }

  lemma OctetsOfPair(p: sextet, q: sextet)
    requires q % 16 == 0
    ensures Octets([p, q]) == Some([B0(p, q)])
  {
  }

  lemma OctetsOfTriple(p: sextet, q: sextet, r: sextet)
    requires r % 4 == 0
    ensures Octets([p, q, r]) == Some([B0(p, q), B1(q, r)])
  {
  }

  lemma OctetsOfGroup(p: sextet, q: sextet, r: sextet, t: sextet, s: seq<sextet>, rest: Bytes)
    requires Octets(s) == Some(rest)
    ensures Octets([p, q, r, t] + s) == Some([B0(p, q), B1(q, r), B2(r, t)] + rest)
  {
    assert ([p, q, r, t] + s)[4..] == s;
  }

  lemma OctetsOfOneByte(x: byte)
    ensures Octets([S0(x), S1(x, 0)]) == Some([x])
  {
    BytesOfSextets(x, 0, 0);
    OctetsOfPair(S0(x), S1(x, 0));
  }

  lemma OctetsOfTwoBytes(x: byte, y: byte)
    ensures Octets([S0(x), S1(x, y), S2(y, 0)]) == Some([x, y])
  {
    BytesOfSextets(x, y, 0);
    OctetsOfTriple(S0(x), S1(x, y), S2(y, 0));
  }

  lemma {:induction false} OctetsInvertSextets(b: Bytes)
    ensures Octets(Sextets(b)) == Some(b)
  {
    hide S0, S1, S2, S3, B0, B1, B2;
    if |b| == 1 {
      OctetsOfOneByte(b[0]);
      assert b == [b[0]];
    } else if |b| == 2 {
      OctetsOfTwoBytes(b[0], b[1]);
      assert b == [b[0], b[1]];
    } else if |b| >= 3 {
      OctetsInvertSextets(b[3..]);
      OctetsOfGroup(S0(b[0]), S1(b[0], b[1]), S2(b[1], b[2]), S3(b[2]), Sextets(b[3..]), b[3..]);
      BytesOfSextets(b[0], b[1], b[2]);
      assert b == [b[0], b[1], b[2]] + b[3..];
    }
  }

  lemma {:induction false} SextetsInvertOctets(s: seq<sextet>)
    requires Octets(s).Some?
    ensures Sextets(Octets(s).value) == s
  {
    if |s| == 2 {
      SextetsOfBytes(s[0], s[1], 0, 0);
    } else if |s| == 3 {
      SextetsOfBytes(s[0], s[1], s[2], 0);
    } else if |s| >= 4 {
      SextetsOfBytes(s[0], s[1], s[2], s[3]);
      assert Octets(s).value[3..] == Octets(s[4..]).value;
      SextetsInvertOctets(s[4..]);
    }
  }

  /** Each three bytes become the four six-bit values of the same number, most significant first. */
  lemma {:induction false} SextetsBigEndian(b: Bytes, k: nat)
    requires 3 * k + 3 <= |b|
    ensures 4 * k + 4 <= |Sextets(b)|
    ensures
      var s := Sextets(b)[4 * k..4 * k + 4];
      s[0] as int * 262144 + s[1] as int * 4096 + s[2] as int * 64 + s[3] as int ==
      b[3 * k] as int * 65536 + b[3 * k + 1] as int * 256 + b[3 * k + 2] as int
    decreases k
  {
    SextetsLength(b);
    if k > 0 {
      SextetsBigEndian(b[3..], k - 1);
      assert Sextets(b)[4 * k..4 * k + 4] == Sextets(b[3..])[4 * (k - 1)..4 * (k - 1) + 4];
    } else {
      GroupBigEndian(b[0], b[1], b[2]);
    }
  }

  lemma GroupBigEndian(x: byte, y: byte, z: byte)
    ensures S0(x) as int * 262144 + S1(x, y) as int * 4096 + S2(y, z) as int * 64 + S3(z) as int ==
            x as int * 65536 + y as int * 256 + z as int
  {
  }

  /** What the groups of three leave over is regrouped by itself. */
  lemma {:induction false} TailSextets(b: Bytes)
    ensures 4 * (|b| / 3) <= |Sextets(b)|
    ensures Sextets(b)[4 * (|b| / 3)..] == Sextets(b[3 * (|b| / 3)..])
    decreases |b|
  {
    hide S0, S1, S2, S3;
    SextetsLength(b);
    if |b| >= 3 {
      var rest := b[3..];
      TailSextets(rest);
      assert |rest| / 3 == |b| / 3 - 1;
      assert Sextets(b)[4..] == Sextets(rest);
      assert b[3 * (|b| / 3)..] == rest[3 * (|rest| / 3)..];
      assert Sextets(b)[4 * (|b| / 3)..] == Sextets(rest)[4 * (|rest| / 3)..];
    }
  }

  /** The one or two bytes left over become two or three values, padded with zero bits on the right. */
  lemma LastSextets(b: Bytes)
    requires |b| % 3 != 0
    ensures 4 * (|b| / 3) <= |Sextets(b)|
    ensures
      var s, n := Sextets(b)[4 * (|b| / 3)..], |b|;
      if n % 3 == 1 then
        |s| == 2 && s[0] as int * 64 + s[1] as int == b[n - 1] as int * 16
      else
        && |s| == 3
        && s[0] as int * 4096 + s[1] as int * 64 + s[2] as int == (b[n - 2] as int * 256 + b[n - 1] as int) * 4
  {
    TailSextets(b);
    var rest := b[3 * (|b| / 3)..];
    LeftOver(rest[0], if |rest| == 2 then rest[1] else 0);
    hide S0, S1, S2, S3;
  }

  lemma LeftOver(x: byte, y: byte)
    ensures S0(x) as int * 64 + S1(x, 0) as int == x as int * 16
    ensures S0(x) as int * 4096 + S1(x, y) as int * 64 + S2(y, 0) as int == (x as int * 256 + y as int) * 4
  {
  }

  function Encode(b: Bytes): string {
    var s := Sextets(b);
    seq(|s|, i requires 0 <= i < |s| => Digit(s[i]))
  }

  predicate AllDigits(s: string) {
    forall k | 0 <= k < |s| :: IsDigit(s[k])
  }

  function Decode(s: string): Option<Bytes> {
    if AllDigits(s) then Octets(seq(|s|, i requires 0 <= i < |s| => Value(s[i]))) else None
  }

  lemma DecodeInvertsEncode(b: Bytes)
    ensures Decode(Encode(b)) == Some(b)
    ensures |Encode(b)| == (|b| * 8 + 5) / 6
  {
    var s := Encode(b);
    var values := seq(|s|, i requires 0 <= i < |s| => Value(s[i]));
    forall i | 0 <= i < |s| ensures values[i] == Sextets(b)[i] {
      DigitValue(Sextets(b)[i]);
    }
    assert values == Sextets(b);
    SextetsLength(b);
    OctetsInvertSextets(b);
  }

  /** Decode is the exact inverse of Encode: it accepts the encodings and nothing else. */
  lemma DecodeIffEncode(s: string, b: Bytes)
    ensures Decode(s) == Some(b) <==> s == Encode(b)
  {
    DecodeInvertsEncode(b);
    if Decode(s) == Some(b) {
      var values := seq(|s|, i requires 0 <= i < |s| => Value(s[i]));
      SextetsInvertOctets(values);
      assert Encode(b) == s;
    }
  }

  lemma EncodeInjective(a: Bytes, b: Bytes)
    requires Encode(a) == Encode(b)
    ensures a == b
  {
    DecodeIffEncode(Encode(a), a);
    DecodeIffEncode(Encode(b), b);
  }

  /**
   GenerateRandomString: fill an n-byte buffer from the random source, then encode it. `source` is
   what the reader will deliver; when it runs dry the Go code panics, which is None here.
   */
  method GenerateRandomString(n: nat, source: Bytes) returns (r: Option<string>)
    ensures r.None? <==> |source| < n
    ensures r.Some? ==> Decode(r.value) == Some(source[..n]) && |r.value| == (n * 8 + 5) / 6
  {
    var buffer := new byte[n];
    var filled := 0;
    while filled < n && filled < |source|
      invariant filled <= n && filled <= |source|
      invariant buffer[..filled] == source[..filled]
    {
      buffer[filled] := source[filled];
      filled := filled + 1;
    }
    if filled < n {
      return None;
    }
    assert buffer[..] == source[..n];
    DecodeInvertsEncode(source[..n]);
    r := Some(Encode(buffer[..]));
  }
}

/** PKCE verification with method S256 (section 4.6 of RFC 7636); SHA-256 is an arbitrary function here. */
module Pkce {
  import opened Wrappers
  import opened Base64Url

  type Digest = d: Bytes | |d| == 32 witness seq(32, _ => 0)

  /** The S256 challenge of a verifier. */
  function S256(sha256: string -> Digest, verifier: string): string {
    Encode(sha256(verifier))
  }

  predicate ValidatePKCE(sha256: string -> Digest, challenge: string, verifier: string) {
    S256(sha256, verifier) == challenge
  }

  /**
   A challenge that any verifier can match is an unpadded base64url text of exactly 43 characters
   whose decoding is the digest of that verifier.
   */
  lemma MatchedChallengeIsADigest(sha256: string -> Digest, challenge: string, verifier: string)
    ensures ValidatePKCE(sha256, challenge, verifier) <==> Decode(challenge) == Some(sha256(verifier))
    ensures ValidatePKCE(sha256, challenge, verifier) ==> |challenge| == 43
  {
    DecodeInvertsEncode(sha256(verifier));
    DecodeIffEncode(challenge, sha256(verifier));
  }
}
