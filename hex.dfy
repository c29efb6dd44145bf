/**
 * Lowercase hexadecimal rendering of a byte string, as Go's fmt "%x" verb
 * renders a [32]byte: two characters per byte, high nibble first.
 */
module Hex {
  import Strings

  type byte = b: int | 0 <= b < 256

  const DigestSize: nat := 32

  /** A SHA-256 digest. */
  type Digest = d: seq<byte> | |d| == DigestSize witness seq(32, _ => 0)

  predicate IsLowerHexDigit(c: char) {
    '0' <= c <= '9' || 'a' <= c <= 'f'
  }

  function HexDigit(n: int): (c: char)
    requires 0 <= n < 16
    ensures IsLowerHexDigit(c)
    ensures c == '0' <==> n == 0
  {
    if n < 10 then ('0' as int + n) as char else ('a' as int + n - 10) as char
  }

  /** The k-th 4-bit group of bs, counting from the high nibble of bs[0]. */
  function Nibble(bs: seq<byte>, k: nat): (v: int)
    requires k < 2 * |bs|
    ensures 0 <= v < 16
  {
    var b := bs[k / 2];
    if k % 2 == 0 then b / 16 else b % 16
  }

  /** fmt.Sprintf("%x", bs). */
  function Encode(bs: seq<byte>): (s: string)
    ensures |s| == 2 * |bs|
  {
    if bs == [] then "" else [HexDigit(bs[0] / 16), HexDigit(bs[0] % 16)] + Encode(bs[1..])
  }

  /** The first n nibbles of d are zero (false when d has fewer than n nibbles). */
  predicate LeadingZeroNibbles(d: seq<byte>, n: nat) {
    n <= 2 * |d| && forall k :: 0 <= k < n ==> Nibble(d, k) == 0
  }

  /** Character k of the rendering is the hex digit of nibble k. */
  lemma {:induction false} EncodeAt(bs: seq<byte>, k: nat)
    requires k < 2 * |bs|
    ensures Encode(bs)[k] == HexDigit(Nibble(bs, k))
    decreases bs
  {
    if k >= 2 {
      EncodeAt(bs[1..], k - 2);
      assert Encode(bs)[k] == Encode(bs[1..])[k - 2];
      assert Nibble(bs, k) == Nibble(bs[1..], k - 2);
    }
  }

  /** Every character of the rendering is a lowercase hex digit. */
  lemma EncodeIsLowerHex(bs: seq<byte>)
    ensures forall k :: 0 <= k < |Encode(bs)| ==> IsLowerHexDigit(Encode(bs)[k])
  {
    forall k | 0 <= k < |Encode(bs)|
      ensures IsLowerHexDigit(Encode(bs)[k])
    {
      EncodeAt(bs, k);
    }
  }

  /** A prefix of n '0' characters in the rendering means exactly n zero nibbles;
      in particular it is impossible for n beyond twice the length. */
  lemma ZeroPrefixIffZeroNibbles(bs: seq<byte>, n: nat)
    ensures Strings.HasPrefix(Encode(bs), Strings.Repeat("0", n)) <==> LeadingZeroNibbles(bs, n)
  {
    var s := Encode(bs);
    Strings.RepeatedCharPrefix(s, '0', n);
    assert "0" == ['0'];
    if n <= |s| {
      forall k | 0 <= k < n
        ensures s[k] == '0' <==> Nibble(bs, k) == 0
      {
        EncodeAt(bs, k);
      }
    }
  }
}
