/**
  Base 64 encoding with the URL and filename safe alphabet of section 5 of
  RFC 4648, padded with '=' as section 4 of RFC 4648 prescribes; this is what
  Go's `base64.URLEncoding.EncodeToString` produces.
*/
module Base64Url {
  import opened GoStd

  type Byte = b: int | 0 <= b < 256

  /** A 6-bit group, the value one encoded character carries. */
  type Sextet = v: int | 0 <= v < 64

  /** The characters of the URL and filename safe alphabet. */
  predicate IsUrlSafe(c: char)
  {
    'A' <= c <= 'Z' || 'a' <= c <= 'z' || '0' <= c <= '9' || c == '-' || c == '_'
  }

  /** Table 2 of RFC 4648: the character that encodes a 6-bit group. */
  function Char(v: Sextet): (c: char)
    ensures IsUrlSafe(c)
  {
    if v < 26 then ('A' as int + v) as char
    else if v < 52 then ('a' as int + (v - 26)) as char
    else if v < 62 then ('0' as int + (v - 52)) as char
    else if v == 62 then '-'
    else '_'
  }

  /** The 6-bit group a character of the alphabet encodes. */
  function Value(c: char): (v: Sextet)
    requires IsUrlSafe(c)
    ensures Char(v) == c
  {
    if 'A' <= c <= 'Z' then c as int - 'A' as int
    else if 'a' <= c <= 'z' then c as int - 'a' as int + 26
    else if '0' <= c <= '9' then c as int - '0' as int + 52
    else if c == '-' then 62
    else 63
  }

  /** Distinct groups are encoded by distinct characters. */
  lemma ValueOfChar(v: Sextet)
    ensures Value(Char(v)) == v
  {
  }

  /** The four characters of a complete 3-byte group. */
  function Quad(x: Byte, y: Byte, z: Byte): string
  {
    [Char(x / 4), Char(x % 4 * 16 + y / 16), Char(y % 16 * 4 + z / 64), Char(z % 64)]
  }

  /** The encoding of section 4 of RFC 4648 up to, but not including, the '='
      padding: each group of three bytes becomes four characters, and a final
      group of one or two bytes becomes two or three characters whose unused
      low bits are zero. */
  function EncodeUnpadded(b: seq<Byte>): (s: string)
    ensures |s| == (4 * |b| + 2) / 3
    ensures forall i :: 0 <= i < |s| ==> IsUrlSafe(s[i])
    decreases |b|
  {
    if |b| == 0 then ""
    else if |b| == 1 then [Char(b[0] / 4), Char(b[0] % 4 * 16)]
    else if |b| == 2 then [Char(b[0] / 4), Char(b[0] % 4 * 16 + b[1] / 16), Char(b[1] % 16 * 4)]
    else Quad(b[0], b[1], b[2]) + EncodeUnpadded(b[3..])
  }

  /** The '=' characters that complete the final 4-character quantum. */
  function Padding(n: nat): string
  {
    if n % 3 == 1 then "==" else if n % 3 == 2 then "=" else ""
  }

  /** base64.URLEncoding.EncodeToString: every 24-bit group becomes four
      characters, so the output is always a whole number of quanta. */
  function Encode(b: seq<Byte>): (s: string)
    ensures |s| == 4 * ((|b| + 2) / 3)
  {
    PaddedLength(|b|);
    EncodeUnpadded(b) + Padding(|b|)
  }

  /** The padding completes the unpadded length to a whole number of quanta. */
  lemma PaddedLength(n: nat)
    ensures (4 * n + 2) / 3 + |Padding(n)| == 4 * ((n + 2) / 3)
  {
    var k := n / 3;
    assert n == 3 * k + n % 3;
    assert (4 * n + 2) / 3 == 4 * k + (4 * (n % 3) + 2) / 3;
    assert (n + 2) / 3 == k + (n % 3 + 2) / 3;
  }

  /** The three bytes that four 6-bit groups carry. */
  function GroupBytes(v0: Sextet, v1: Sextet, v2: Sextet, v3: Sextet): seq<Byte>
  {
    [v0 * 4 + v1 / 16, v1 % 16 * 16 + v2 / 4, v2 % 4 * 64 + v3]
  }

  /** A decoder for unpadded text, the inverse of EncodeUnpadded. */
  function DecodeUnpadded(s: string): (b: seq<Byte>)
    requires forall i :: 0 <= i < |s| ==> IsUrlSafe(s[i])
    requires |s| % 4 != 1
    decreases |s|
  {
    if |s| == 0 then []
    else if |s| == 2 then GroupBytes(Value(s[0]), Value(s[1]), 0, 0)[..1]
    else if |s| == 3 then GroupBytes(Value(s[0]), Value(s[1]), Value(s[2]), 0)[..2]
    else GroupBytes(Value(s[0]), Value(s[1]), Value(s[2]), Value(s[3])) + DecodeUnpadded(s[4..])
  }

  /** The bit arithmetic of one 3-byte group: splitting it into four 6-bit
      groups and joining them again gives the bytes back. */
  lemma GroupRoundTrip(x: Byte, y: Byte, z: Byte, v0: Sextet, v1: Sextet, v2: Sextet, v3: Sextet)
    requires v0 == x / 4 && v1 == x % 4 * 16 + y / 16
    requires v2 == y % 16 * 4 + z / 64 && v3 == z % 64
    ensures GroupBytes(v0, v1, v2, v3) == [x, y, z]
  {
    assert v1 / 16 == x % 4 && v1 % 16 == y / 16;
    assert v2 / 4 == y % 16 && v2 % 4 == z / 64;
  }

  /** The characters of a group decode to the 6-bit groups they encode. */
  lemma QuadValues(x: Byte, y: Byte, z: Byte)
    ensures var q := Quad(x, y, z);
      Value(q[0]) == x / 4 && Value(q[1]) == x % 4 * 16 + y / 16
      && Value(q[2]) == y % 16 * 4 + z / 64 && Value(q[3]) == z % 64
  {
    ValueOfChar(x / 4);
    ValueOfChar(x % 4 * 16 + y / 16);
    ValueOfChar(y % 16 * 4 + z / 64);
    ValueOfChar(z % 64);
  }

  /** A string of URL-safe characters followed by another is one. */
  lemma UrlSafeConcat(a: string, b: string)
    requires forall i :: 0 <= i < |a| ==> IsUrlSafe(a[i])
    requires forall i :: 0 <= i < |b| ==> IsUrlSafe(b[i])
    ensures forall i :: 0 <= i < |a + b| ==> IsUrlSafe((a + b)[i])
  {
  }

  /** Decoding a complete group in front of more text. */
  lemma DecodeQuad(x: Byte, y: Byte, z: Byte, rest: string)
    requires forall i :: 0 <= i < |rest| ==> IsUrlSafe(rest[i])
    requires |rest| % 4 != 1
    ensures |Quad(x, y, z) + rest| % 4 != 1
    ensures forall i :: 0 <= i < |Quad(x, y, z) + rest| ==> IsUrlSafe((Quad(x, y, z) + rest)[i])
    ensures DecodeUnpadded(Quad(x, y, z) + rest) == [x, y, z] + DecodeUnpadded(rest)
  {
    var q := Quad(x, y, z);
    var s := q + rest;
    assert |q| == 4 && (|rest| + 4) % 4 == |rest| % 4;
    UrlSafeConcat(q, rest);
    assert s[4..] == rest;
    assert s[0] == q[0] && s[1] == q[1] && s[2] == q[2] && s[3] == q[3];
    QuadValues(x, y, z);
    var v0, v1, v2, v3 := Value(s[0]), Value(s[1]), Value(s[2]), Value(s[3]);
    GroupRoundTrip(x, y, z, v0, v1, v2, v3);
    assert DecodeUnpadded(s) == GroupBytes(v0, v1, v2, v3) + DecodeUnpadded(rest);
  }

  /** Decoding a final group of one or two bytes. */
  lemma DecodeFinalGroup(b: seq<Byte>)
    requires 1 <= |b| <= 2
    ensures |EncodeUnpadded(b)| % 4 != 1
    ensures DecodeUnpadded(EncodeUnpadded(b)) == b
  {
    var s := EncodeUnpadded(b);
    if |b| == 1 {
      QuadValues(b[0], 0, 0);
      GroupRoundTrip(b[0], 0, 0, Value(s[0]), Value(s[1]), 0, 0);
    } else {
      QuadValues(b[0], b[1], 0);
      GroupRoundTrip(b[0], b[1], 0, Value(s[0]), Value(s[1]), Value(s[2]), 0);
    }
  }

  /** A sequence of at least three elements is its first three and the rest. */
  lemma FirstThree(b: seq<Byte>)
    requires |b| >= 3
    ensures b == [b[0], b[1], b[2]] + b[3..]
  {
    assert b[..3] == [b[0], b[1], b[2]];
    assert b == b[..3] + b[3..];
  }

  /** Decoding undoes the encoding, so the encoding is injective. */
  lemma {:induction false} DecodeEncode(b: seq<Byte>)
    ensures |EncodeUnpadded(b)| % 4 != 1
    ensures DecodeUnpadded(EncodeUnpadded(b)) == b
    decreases |b|
  {
    if 1 <= |b| <= 2 {
      DecodeFinalGroup(b);
    } else if |b| >= 3 {
      var rest := EncodeUnpadded(b[3..]);
      assert EncodeUnpadded(b) == Quad(b[0], b[1], b[2]) + rest;
      DecodeEncode(b[3..]);
      DecodeQuad(b[0], b[1], b[2], rest);
      FirstThree(b);
    }
  }

  /** Removing the trailing '=' from the padded encoding leaves exactly the
      unpadded encoding. */
  lemma TrimmedEncoding(b: seq<Byte>)
    ensures TrimRight(Encode(b), '=') == EncodeUnpadded(b)
  {
    var s := EncodeUnpadded(b);
    assert s == [] || IsUrlSafe(s[|s| - 1]);
    TrimRightPadding(s, Padding(|b|), '=');
  }
}
