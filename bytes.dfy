/** Bytes as they travel over the BLE link, and the ASCII encoding that
    `str.encode()` applies to the two-character LED commands. */
module Bytes {

  /** One octet of a GATT payload. */
  type Byte = b: int | 0 <= b < 256

  /** 256^n, the number of distinct payloads of n bytes. */
  function Pow256(n: nat): (p: nat)
    ensures p >= 1
  {
    if n == 0 then 1 else 256 * Pow256(n - 1)
  }

  /** A string every character of which is 7-bit ASCII. */
  predicate IsAscii(s: string)
  {
    forall i :: 0 <= i < |s| ==> s[i] as int < 128
  }

  /** UTF-8 encoding of an ASCII string: one byte per character, its code point. */
  function EncodeAscii(s: string): (r: seq<Byte>)
    requires IsAscii(s)
    ensures |r| == |s|
    ensures forall i :: 0 <= i < |s| ==> r[i] == s[i] as int
  {
    seq(|s|, i requires 0 <= i < |s| => s[i] as int)
  }

  /** Reads bytes back as ASCII characters. */
  function DecodeAscii(bs: seq<Byte>): (s: string)
    requires forall i :: 0 <= i < |bs| ==> bs[i] < 128
    ensures |s| == |bs|
    ensures forall i :: 0 <= i < |bs| ==> s[i] as int == bs[i]
  {
    seq(|bs|, i requires 0 <= i < |bs| => bs[i] as char)
  }

  /** The encoding loses nothing: decoding the bytes gives back the string. */
  lemma AsciiRoundTrip(s: string)
    requires IsAscii(s)
    ensures DecodeAscii(EncodeAscii(s)) == s
  {
  }
}
