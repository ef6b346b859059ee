/**
 * The checksum text used for dedup on both sides: a digest rendered as lower-case
 * base16 (section 8 of RFC 4648, but with the lower-case alphabet), two characters per
 * digest byte, in byte order. The digest itself (SHA-256, FIPS 180-4) is not modelled:
 * it enters as a function parameter.
 */
module Checksum {

  type Byte = x: int | 0 <= x < 256
  type Bytes = seq<Byte>

  const HexAlphabet: string := "0123456789abcdef"

  predicate IsLowerHex(c: char) {
    '0' <= c <= '9' || 'a' <= c <= 'f'
  }

  function HexDigit(v: nat): (c: char)
    requires v < 16
    ensures IsLowerHex(c)
  {
    HexAlphabet[v]
  }

  /** Position of a character in the lower-case alphabet; 0 for any other character. */
  function HexValue(c: char): (v: nat)
    ensures v < 16
  {
    if '0' <= c <= '9' then c as int - '0' as int
    else if 'a' <= c <= 'f' then c as int - 'a' as int + 10
    else 0
  }

  lemma HexValueOfDigit(v: nat)
    requires v < 16
    ensures HexValue(HexDigit(v)) == v
  {
  }

  /** `String(format: "%02x", b)` for one byte. */
  function HexByte(b: Byte): (s: string)
    ensures |s| == 2
  {
    [HexDigit(b / 16), HexDigit(b % 16)]
  }

  /** `digest.compactMap { String(format: "%02x", $0) }.joined()` */
  function HexLower(digest: Bytes): (s: string)
    ensures |s| == 2 * |digest|
  {
    if digest == [] then "" else HexByte(digest[0]) + HexLower(digest[1..])
  }

  /** Reads a hex string back, two characters per byte. */
  function ParseHex(s: string): Bytes
    decreases |s|
  {
    if |s| < 2 then [] else [16 * HexValue(s[0]) + HexValue(s[1])] + ParseHex(s[2..])
  }

  lemma {:induction false} HexLowerRoundTrip(digest: Bytes)
    ensures ParseHex(HexLower(digest)) == digest
  {
    if digest != [] {
      var b := digest[0];
      var s := HexLower(digest);
      HexLowerRoundTrip(digest[1..]);
      HexValueOfDigit(b / 16);
      HexValueOfDigit(b % 16);
      assert s[2..] == HexLower(digest[1..]);
      assert s[0] == HexDigit(b / 16) && s[1] == HexDigit(b % 16);
    }
  }

  /** Distinct digests never render to the same checksum text. */
  lemma HexLowerInjective(a: Bytes, b: Bytes)
    requires HexLower(a) == HexLower(b)
    ensures a == b
  {
    HexLowerRoundTrip(a);
    HexLowerRoundTrip(b);
  }

  /** Byte `i` of the digest is rendered at positions `2i` and `2i+1`. */
  lemma {:induction false} HexLowerAt(digest: Bytes, i: nat)
    requires i < |digest|
    ensures HexLower(digest)[2 * i .. 2 * i + 2] == HexByte(digest[i])
  {
    if i > 0 {
      HexLowerAt(digest[1..], i - 1);
      assert HexLower(digest)[2..] == HexLower(digest[1..]);
    }
  }

  lemma {:induction false} HexLowerAlphabet(digest: Bytes)
    ensures forall k :: 0 <= k < |HexLower(digest)| ==> IsLowerHex(HexLower(digest)[k])
  {
    if digest != [] {
      HexLowerAlphabet(digest[1..]);
      var s := HexLower(digest);
      assert s == HexByte(digest[0]) + HexLower(digest[1..]);
      forall k | 0 <= k < |s| ensures IsLowerHex(s[k]) {
        if k >= 2 {
          assert s[k] == HexLower(digest[1..])[k - 2];
        }
      }
    }
  }

  /**
   * `Data.sha256Checksum()` on the client and `calculateChecksum(from:)` on the server:
   * the same rendering of the same digest function.
   */
  function Sha256Checksum(data: Bytes, sha256: Bytes -> Bytes): string {
    HexLower(sha256(data))
  }

  /** A 32-byte SHA-256 digest gives a 64-character string of lower-case hex digits. */
  lemma Sha256ChecksumShape(data: Bytes, sha256: Bytes -> Bytes)
    requires |sha256(data)| == 32
    ensures |Sha256Checksum(data, sha256)| == 64
    ensures forall k :: 0 <= k < 64 ==> IsLowerHex(Sha256Checksum(data, sha256)[k])
  {
    HexLowerAlphabet(sha256(data));
  }
}
