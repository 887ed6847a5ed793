/** Bytes and "binary strings": JavaScript strings whose every code unit is below 256,
    the representation `String.fromCharCode`, `btoa` and `atob` work with. */
module Bytes {

  /** One element of a `Uint8Array`. */
  newtype uint8 = x: int | 0 <= x < 256

  /** A string every character of which stands for one byte. */
  predicate IsBinaryString(s: string) {
    forall i :: 0 <= i < |s| ==> s[i] as int < 256
  }

  /** The binary string with one character per byte, its code equal to the byte. */
  function BinaryString(b: seq<uint8>): (s: string)
    ensures |s| == |b| && IsBinaryString(s)
    ensures forall i :: 0 <= i < |b| ==> s[i] as int == b[i] as int
  {
    seq(|b|, i requires 0 <= i < |b| => b[i] as int as char)
  }

  /** The character codes of a binary string, one byte per character. */
  function CharCodes(s: string): (b: seq<uint8>)
    requires IsBinaryString(s)
    ensures |b| == |s|
    ensures forall i :: 0 <= i < |s| ==> b[i] as int == s[i] as int
  {
    seq(|s|, i requires 0 <= i < |s| => s[i] as int as uint8)
  }

  /** Reading back the codes of the binary string of some bytes gives those bytes. */
  lemma CharCodesOfBinaryString(b: seq<uint8>)
    ensures CharCodes(BinaryString(b)) == b
  {
  }

  /** A binary string is determined by its codes. */
  lemma BinaryStringOfCharCodes(s: string)
    requires IsBinaryString(s)
    ensures BinaryString(CharCodes(s)) == s
  {
  }
}
